/** The device interface of mip_sdk_interface.c: the ring buffer, the packet buffer and the parser
    variables, proved to behave as the receiver of MipReceiver. */
module MipInterfaces {
  import opened Bytes
  import opened Mip
  import opened MipStream
  import opened MipReceiver
  import opened Options
  import opened RingBuffers

  const MAX_CALLBACKS: nat := 10

  /** The address of the command response handler. */
  const COMMAND_RESPONSE_HANDLER: nat := 1

  // ---- One-byte entries ----

  /** Every byte as a ring entry of its own. */
  function Singles(s: seq<byte>): (q: seq<seq<byte>>)
    ensures |q| == |s|
  {
    if s == [] then [] else [[s[0]]] + Singles(s[1..])
  }

  lemma {:induction false} SinglesDrop(s: seq<byte>, k: nat)
    requires k <= |s|
    ensures Singles(s)[k..] == Singles(s[k..])
  {
    if k > 0 {
      SinglesDrop(s[1..], k - 1);
      assert s[1..][k - 1..] == s[k..];
    }
  }

  lemma {:induction false} SinglesAt(s: seq<byte>, k: nat)
    requires k < |s|
    ensures Singles(s)[k] == [s[k]]
  {
    if k > 0 { SinglesAt(s[1..], k - 1); }
  }

  lemma {:induction false} SinglesJoin(s: seq<byte>, t: seq<byte>)
    ensures Singles(s + t) == Singles(s) + Singles(t)
  {
    if s == [] {
      assert s + t == t;
    } else {
      assert (s + t)[1..] == s[1..] + t;
      SinglesJoin(s[1..], t);
    }
  }

  lemma {:induction false} CutSingles(s: seq<byte>, n: nat)
    requires n <= |s|
    ensures Cut(s, 1, n) == Singles(s[..n])
  {
    if n > 0 {
      CutSingles(s, n - 1);
      OffsetIsProduct(1, n - 1);
      assert s[..n] == s[..n - 1] + [s[n - 1]];
      SinglesJoin(s[..n - 1], [s[n - 1]]);
    }
  }

  /** New bytes go to the end of what the ring holds of the stream. */
  lemma ArriveSingles(s: seq<byte>, count: nat, bytes: seq<byte>)
    requires count <= |s|
    ensures Singles((s + bytes)[|s + bytes| - (count + |bytes|)..]) == Singles(s[|s| - count..]) + Singles(bytes)
  {
    assert (s + bytes)[|s| - count..] == s[|s| - count..] + bytes;
    SinglesJoin(s[|s| - count..], bytes);
  }

  /** The checksum test on the packet buffer is the test for a whole packet at its front. */
  lemma WholePacket(mem: seq<byte>, size: nat)
    requires HoldsPacket(mem) && size == HEADER_SIZE + mem[3] + CHECKSUM_SIZE
    ensures IsPacket(mem[..size]) <==> HasSync(mem) && ChecksumMatches(mem)
  {
    assert Covered(mem[..size]) == Covered(mem);
    assert mem[..size][size - 2..size] == mem[size - 2..size];
  }

  lemma SameStretch(got: seq<byte>, s: seq<byte>, p: nat, k: nat)
    requires p + |got| <= |s| && k <= |got| && forall j :: 0 <= j < |got| ==> got[j] == s[p + j]
    ensures got == s[p..p + |got|] && got[..k] == s[p..p + k]
  {}

  lemma StretchKept(s: seq<byte>, bytes: seq<byte>, p: nat, n: nat)
    requires p + n <= |s|
    ensures (s + bytes)[p..p + n] == s[p..p + n]
  {}

  /** A longer stretch in the buffer leaves the bytes held before. */
  lemma FrontKept(front: seq<byte>, mem: seq<byte>, s: seq<byte>, p: nat, n: nat)
    requires |front| <= n <= |mem| && p + n <= |s| && front == s[p..p + |front|] && mem[..n] == s[p..p + n]
    ensures mem[..|front|] == front
    ensures forall j :: 0 <= j < |front| ==> mem[j] == front[j]
  {
    assert mem[..|front|] == mem[..n][..|front|] && s[p..p + n][..|front|] == front;
  }

  // ---- The interface ----

  /** Slot 0 is the command response handler's, the others are empty. */
  ghost predicate FirstCallbacks(callbacks: array<Callback>, self: nat)
    reads callbacks
  {
    callbacks.Length == MAX_CALLBACKS + 1 && callbacks[0] == Callback(0, COMMAND_RESPONSE_HANDLER, self) &&
    forall i :: 0 < i <= MAX_CALLBACKS ==> callbacks[i] == Callback(0, 0, 0)
  }

  method NewCallbacks(self: nat) returns (callbacks: array<Callback>)
    ensures fresh(callbacks) && FirstCallbacks(callbacks, self)
  {
    callbacks := new Callback[MAX_CALLBACKS + 1](_ => Callback(0, 0, 0));
    callbacks[0] := Callback(0, COMMAND_RESPONSE_HANDLER, self);
  }

  method NewRing(capacity: nat) returns (ring: RingBuffer)
    requires capacity <= 0x8000_0000
    ensures fresh(ring) && fresh(ring.entries) && ring.Valid()
    ensures ring.entrySize == 1 && ring.maxEntries == capacity && ring.count == 0 && ring.Contents() == []
  {
    OffsetIsProduct(1, capacity);
    hide Offset;
    var bytes := new byte[capacity];
    ring := new RingBuffer.InitStatic(bytes, capacity, 1);
    assert |ring.Contents()| == ring.count;
  }

  class MipInterface {
    const input: RingBuffer
    const packet: array<byte>
    const packetTimeout: nat
    const callbacks: array<Callback>
    var byteCount: nat
    var startTime: nat
    var inSync: bool
    var badChecksums: nat
    var timeouts: nat
    var headersSkipped: nat
    /** The receiver this object implements. */
    ghost var r: Receiver

    ghost predicate Shape()
      reads this, input
    {
      && input.Valid() && input.entrySize == 1 && input.maxEntries >= MAX_PACKET_SIZE
      && packet.Length == MAX_PACKET_SIZE && packet != input.entries && callbacks.Length == MAX_CALLBACKS + 1
    }

    /** The variables are those of the receiver, and the ring holds the bytes it has not taken. */
    ghost predicate Mirrors()
      requires Shape()
      reads this, input, input.entries
    {
      && byteCount == r.byteCount && startTime == r.startTime && inSync == r.inSync
      && badChecksums == r.badChecksums && timeouts == r.timeouts && headersSkipped == r.headersSkipped
      && r.pos + (if byteCount > 0 then 1 else 0) + input.count == |r.stream|
      && input.Contents() == Singles(r.stream[|r.stream| - input.count..])
    }

    /** The packet buffer holds what `byteCount` says of the stream at `pos`. */
    ghost predicate Holds()
      requires Shape()
      reads this, input, packet
    {
      && byteCount in {0, 1, HEADER_SIZE}
      && r.pos + byteCount <= |r.stream|
      && packet[..byteCount] == r.stream[r.pos..r.pos + byteCount]
      && (byteCount >= 1 ==> packet[0] == SYNC_BYTE1)
      && (byteCount == HEADER_SIZE ==> packet[1] == SYNC_BYTE2)
    }

    ghost predicate Valid()
      reads this, input, input.entries, packet
    {
      Shape() && Mirrors() && Holds() && Good(r)
    }

    /** The ring holds a largest packet at least. */
    constructor (packetTimeout: nat, capacity: nat, self: nat)
      requires MAX_PACKET_SIZE <= capacity <= 0x8000_0000
      ensures Valid() && r == INITIAL && this.packetTimeout == packetTimeout && input.maxEntries == capacity
      ensures FirstCallbacks(callbacks, self)
      ensures fresh(input) && fresh(input.entries) && fresh(packet) && fresh(callbacks)
    {
      InitialIsGood();
      assert Singles([]) == [];
      hide Offset, Good, Singles, Queue, FirstCallbacks;
      packet := new byte[MAX_PACKET_SIZE](_ => 0);
      var ring := NewRing(capacity);
      input := ring;
      this.packetTimeout := packetTimeout;
      var slots := NewCallbacks(self);
      callbacks := slots;
      byteCount, startTime, inSync := 0, 0, false;
      badChecksums, timeouts, headersSkipped := 0, 0, 0;
      r := INITIAL;
    }

    /** Records that `bytes` were appended to the ring. */
    ghost method Arrived(bytes: seq<byte>)
      requires Shape() && Good(r) && Holds()
      requires byteCount == r.byteCount && startTime == r.startTime && inSync == r.inSync
      requires badChecksums == r.badChecksums && timeouts == r.timeouts && headersSkipped == r.headersSkipped
      requires |bytes| <= input.count
      requires var before := input.count - |bytes|;
               r.pos + (if byteCount > 0 then 1 else 0) + before == |r.stream| &&
               input.Contents() == Singles(r.stream[|r.stream| - before..]) + Singles(bytes)
      modifies this`r
      ensures Valid() && r == Step(old(r), Arrive(bytes), packetTimeout)
    {
      hide Good, Queue, Singles, ParseCall, Offset;
      StepKeepsGood(r, Arrive(bytes), packetTimeout);
      ArriveSingles(r.stream, input.count - |bytes|, bytes);
      StretchKept(r.stream, bytes, r.pos, byteCount);
      r := Step(r, Arrive(bytes), packetTimeout);
    }

    /** Puts bytes into the ring until it is full. */
    method Write(data: seq<byte>) returns (ok: bool, written: nat)
      requires Valid()
      modifies this, input, input.entries
      ensures Valid()
      ensures written == Min(|data|, input.maxEntries - old(input.count)) && ok == (written == |data|)
      ensures r == Step(old(r), Arrive(data[..written]), packetTimeout)
      ensures input.everOverrun == old(input.everOverrun) + if ok then 0 else 1
    {
      hide Good, Queue, Singles;
      written := 0;
      ghost var r0 := r;
      assert r0.stream + [] == r0.stream;
      for i := 0 to |data|
        invariant Valid() && written == i && input.count == old(input.count) + i
        invariant r == Step(r0, Arrive(data[..i]), packetTimeout)
        invariant input.everOverrun == old(input.everOverrun)
      {
        var ret := PutByte(data, i);
        if ret != Ok {
          return false, written;
        }
        assert r0.stream + data[..i] + [data[i]] == r0.stream + data[..i + 1];
        written := written + 1;
      }
      assert data[..|data|] == data;
      ok := true;
    }

    method PutByte(data: seq<byte>, i: nat) returns (ret: Status)
      requires Valid() && i < |data|
      modifies this`r, input, input.entries
      ensures Valid() && ret == if old(input.count) == input.maxEntries then Full else Ok
      ensures ret == Ok ==> r == Step(old(r), Arrive([data[i]]), packetTimeout)
                            && input.count == old(input.count) + 1 && input.everOverrun == old(input.everOverrun)
      ensures ret == Full ==> r == old(r) && input.everOverrun == old(input.everOverrun) + 1
    {
      hide Good, Queue;
      ret := input.Write(data[i..i + 1], 1);
      if ret == Ok {
        assert data[i..i + 1][..1] == [data[i]];
        Arrived([data[i]]);
      }
    }

    /** One turn of the main loop: move what the port has and the ring can take, then parse. `got` is how
        many bytes the port gave of those asked for. */
    method Update(port: seq<byte>, got: nat, startNow: nat, checkNow: nat)
      requires Valid() && got <= Min(input.maxEntries - input.count, |port|)
      modifies this, input, input.entries, packet
      ensures Valid() && input.everOverrun == old(input.everOverrun)
      ensures r == Step(Step(old(r), Arrive(port[..got]), packetTimeout), Parse(startNow, checkNow, callbacks[..]), packetTimeout)
    {
      var numBytes := input.maxEntries;
      if input.maxEntries - input.count < numBytes {
        numBytes := input.maxEntries - input.count;
      }
      if numBytes > |port| {
        numBytes := |port|;
      }
      Store(port[..got]);
      ParseInputBuffer(startNow, checkNow);
    }

    method Store(bytes: seq<byte>)
      requires Valid() && |bytes| <= input.maxEntries - input.count
      modifies this`r, input, input.entries
      ensures Valid() && input.everOverrun == old(input.everOverrun)
      ensures r == Step(old(r), Arrive(bytes), packetTimeout)
    {
      hide Good, Queue, Singles, Cut;
      if |bytes| > 0 {
        OffsetIsProduct(1, |bytes|);
        CutSingles(bytes, |bytes|);
        assert bytes[..|bytes|] == bytes;
        var ret, written := input.WriteMulti(bytes, |bytes|);
        Arrived(bytes);
      } else {
        assert r.stream + bytes == r.stream;
      }
    }

    method ParseInputBuffer(startNow: nat, checkNow: nat)
      requires Valid()
      modifies this, input, packet
      ensures Valid() && input.everOverrun == old(input.everOverrun)
      ensures r == ParseCall(old(r), startNow, checkNow, packetTimeout, callbacks[..])
      ensures Announced(old(r), r, startNow, checkNow, packetTimeout, callbacks[..])
      ensures old(input.count) >= MAX_PACKET_SIZE ==> r.pos > old(r.pos)
    {
      ParseAnnounces(r, startNow, checkNow, packetTimeout, callbacks[..]);
      if input.count >= MAX_PACKET_SIZE {
        FullRingMoves(r, startNow, checkNow, packetTimeout, callbacks[..]);
      }
      hide Good, Queue, Singles, Settle, Seek, Decide, IsPacket, Late, CallsFor, Announced;
      if byteCount < HEADER_SIZE {
        SearchHeader(startNow, checkNow);
      } else {
        assert packet[..byteCount][0] == SYNC_BYTE1;
        SeekStays(r, startNow);
      }
      if byteCount >= HEADER_SIZE {
        GetPacket(checkNow);
      }
    }

    /** The search for a start byte and the header behind it. */
    method SearchHeader(startNow: nat, checkNow: nat)
      requires Valid() && byteCount < HEADER_SIZE
      modifies this, input, packet
      ensures Valid() && input.everOverrun == old(input.everOverrun) && byteCount <= HEADER_SIZE
      ensures byteCount < HEADER_SIZE ==> r == ParseCall(old(r), startNow, checkNow, packetTimeout, callbacks[..])
      ensures byteCount == HEADER_SIZE ==>
                r.pos < |r.stream| && r.stream[r.pos] == SYNC_BYTE1 &&
                Settle(r, checkNow, packetTimeout, callbacks[..]) ==
                ParseCall(old(r), startNow, checkNow, packetTimeout, callbacks[..])
    {
      hide Good, Queue, Singles, Settle, Seek;
      FindStartByte(startNow);
      if byteCount > 0 {
        assert packet[..byteCount][0] == SYNC_BYTE1;
        SettleIgnoresCount(r, HEADER_SIZE, checkNow, packetTimeout, callbacks[..]);
        GetHeader(checkNow);
      }
    }

    method FindStartByte(startNow: nat)
      requires Valid() && byteCount < HEADER_SIZE
      modifies this, input, packet
      ensures Valid() && input.everOverrun == old(input.everOverrun)
      ensures r == Seek(old(r), startNow) && byteCount < HEADER_SIZE
    {
      hide Good, Queue, Singles;
      ghost var r0 := r;
      while byteCount == 0 && input.count > 0
        invariant Valid() && byteCount < HEADER_SIZE && input.everOverrun == old(input.everOverrun)
        invariant if byteCount == 0 then Seek(r, startNow) == Seek(r0, startNow) else r == Seek(r0, startNow)
        decreases input.count
      {
        TakeByte(startNow);
      }
    }

    /** Takes one byte off the ring while searching. */
    method TakeByte(startNow: nat)
      requires Valid() && byteCount == 0 && input.count > 0
      modifies this, input, packet
      ensures Valid() && input.everOverrun == old(input.everOverrun) && input.count == old(input.count) - 1
      ensures r == if old(r.stream[r.pos]) == SYNC_BYTE1 then old(r).(byteCount := 1, startTime := startNow)
                   else old(r).(pos := old(r.pos) + 1)
    {
      hide Queue, Singles, Good;
      ghost var s, p := r.stream, r.pos;
      SinglesAt(s[p..], 0);
      SinglesDrop(s[p..], 1);
      assert s[p..][1..] == s[p + 1..];
      assert s[p..p + 1] == [s[p]];
      var ret := input.Read(packet, 0);
      assert packet[0] == s[p] && input.Contents() == Singles(s[p + 1..]);
      if ret == Ok && packet[0] == SYNC_BYTE1 {
        byteCount := 1;
        startTime := startNow;
        HoldingKeepsGood(r, 1, startNow);
        r := r.(byteCount := 1, startTime := startNow);
      } else {
        SkipKeepsGood(r);
        r := r.(pos := p + 1);
      }
    }

    /** Copies one ring byte, leaving it in the ring. */
    method PeekByte(k: nat)
      requires Shape() && Mirrors() && byteCount > 0 && k < input.count && k + 1 < MAX_PACKET_SIZE
      modifies packet
      ensures forall j :: 0 <= j <= k ==> packet[j] == old(packet[j])
      ensures packet[k + 1] == r.stream[r.pos + 1 + k]
    {
      hide Good, Queue, Singles;
      SinglesAt(r.stream[r.pos + 1..], k);
      var ret := input.LookaheadRead(k, packet, k + 1, 1);
    }

    method PeekBytes(offset: nat, n: nat)
      requires Shape() && Mirrors() && byteCount > 0 && offset + n <= input.count && offset + n < MAX_PACKET_SIZE
      modifies packet
      ensures forall j :: 0 <= j <= offset ==> packet[j] == old(packet[j])
      ensures forall j :: offset < j <= offset + n ==> packet[j] == r.stream[r.pos + j]
    {
      assert r.pos + offset + n + 1 <= |r.stream|;
      hide Mirrors;
      for i := 0 to n
        invariant forall j :: 0 <= j <= offset ==> packet[j] == old(packet[j])
        invariant forall j :: offset < j <= offset + i ==> packet[j] == r.stream[r.pos + j]
      {
        PeekByte(offset + i);
      }
    }

    method PeekStretch(offset: nat, n: nat)
      requires Shape() && Mirrors() && byteCount > 0 && offset + n <= input.count && offset + n < MAX_PACKET_SIZE
      requires r.pos + offset + 1 <= |r.stream| && packet[..offset + 1] == r.stream[r.pos..r.pos + offset + 1]
      modifies packet
      ensures r.pos + offset + n + 1 <= |r.stream|
      ensures packet[..offset + n + 1] == r.stream[r.pos..r.pos + offset + n + 1]
    {
      hide Queue, Singles;
      assert r.pos + offset + n + 1 <= |r.stream|;
      hide Mirrors;
      ghost var front := packet[..offset + 1];
      assert forall j :: 0 <= j <= offset ==> front[j] == packet[j] == r.stream[r.pos + j];
      PeekBytes(offset, n);
      SameStretch(packet[..offset + n + 1], r.stream, r.pos, 0);
    }

    /** Copies `n` ring bytes from `offset` on into the packet buffer. */
    method Peek(offset: nat, n: nat)
      requires Valid() && 0 < byteCount <= offset + 1 && offset + n <= input.count && offset + n < MAX_PACKET_SIZE
      requires packet[..offset + 1] == r.stream[r.pos..r.pos + offset + 1]
      modifies packet
      ensures Valid() && packet[..offset + n + 1] == r.stream[r.pos..r.pos + offset + n + 1]
    {
      hide Good, Queue, Singles;
      ghost var front := packet[..byteCount];
      PeekStretch(offset, n);
      hide Mirrors;
      FrontKept(front, packet[..], r.stream, r.pos, offset + n + 1);
    }

    /** Looks for the rest of a header behind the start byte. */
    method GetHeader(checkNow: nat)
      requires Valid() && byteCount == 1
      modifies this, packet
      ensures Valid()
      ensures byteCount == HEADER_SIZE ==> r == old(r).(byteCount := HEADER_SIZE)
      ensures byteCount != HEADER_SIZE ==> r == Settle(old(r), checkNow, packetTimeout, callbacks[..])
      ensures byteCount < HEADER_SIZE || byteCount == HEADER_SIZE
    {
      hide Good, Queue, Singles, Settle;
      if input.count >= HEADER_SIZE - 1 {
        Peek(0, HEADER_SIZE - 1);
        ghost var s, p := r.stream, r.pos;
        assert forall k :: 0 <= k < HEADER_SIZE ==> packet[..HEADER_SIZE][k] == s[p + k];
        if packet[1] == SYNC_BYTE2 && packet[3] + HEADER_SIZE + CHECKSUM_SIZE <= MAX_PACKET_SIZE {
          byteCount := HEADER_SIZE;
          HoldingKeepsGood(r, HEADER_SIZE, r.startTime);
          r := r.(byteCount := HEADER_SIZE);
        } else {
          SkipHeader(checkNow);
        }
      } else {
        var late := Timeout(checkNow);
        WaitOrGiveUp(checkNow, late, []);
      }
    }

    method SkipHeader(ghost checkNow: nat)
      requires Valid() && byteCount == 1
      requires r.pos + HEADER_SIZE <= |r.stream| && r.stream[r.pos + 1] != SYNC_BYTE2
      modifies this
      ensures Valid() && byteCount == 0 && r == Settle(old(r), checkNow, packetTimeout, callbacks[..])
    {
      hide Reaches, Queue, Singles, IsPacket, CallsFor, Late;
      SettleKeepsGood(r, checkNow, packetTimeout, callbacks[..]);
      inSync := false;
      byteCount := 0;
      headersSkipped := Low32(headersSkipped + 1);
      r := Settle(r, checkNow, packetTimeout, callbacks[..]);
    }

    /** Too few bytes to settle the start byte: start over if the wait was too long. */
    method WaitOrGiveUp(ghost checkNow: nat, late: bool, ghost made: seq<Call>)
      requires Valid() && byteCount > 0 && Decide(r.stream, r.pos).NeedMore?
      requires byteCount == if r.pos + HEADER_SIZE <= |r.stream| then HEADER_SIZE else 1
      requires late == Late(startTime, checkNow, packetTimeout)
      requires made == if late && byteCount == HEADER_SIZE
                       then CallsFor(callbacks[..], r.stream[r.pos..r.pos + HEADER_SIZE], TimedOut) else []
      modifies this
      ensures Valid() && r == Settle(old(r), checkNow, packetTimeout, callbacks[..])
      ensures byteCount == if late then 0 else old(byteCount)
    {
      hide Reaches, Queue, Singles, IsPacket, CallsFor, Late;
      SettleKeepsGood(r, checkNow, packetTimeout, callbacks[..]);
      if late {
        timeouts := Low32(timeouts + 1);
        byteCount := 0;
        inSync := false;
      }
      r := Settle(r, checkNow, packetTimeout, callbacks[..]);
    }

    /** A whole header is held: take the packet behind it if it has come and its checksum is right. */
    method GetPacket(checkNow: nat)
      requires Valid() && byteCount == HEADER_SIZE
      modifies this, input, packet
      ensures Valid() && input.everOverrun == old(input.everOverrun)
      ensures r == Settle(old(r), checkNow, packetTimeout, callbacks[..])
    {
      hide Good, Queue, Singles, Settle, Decide, CallsFor, IsPacket, Mirrors, Late;
      var rest := packet[3] + CHECKSUM_SIZE;
      HeldHeader();
      if input.count >= HEADER_SIZE - 1 + rest {
        var ret := FetchPacket(HEADER_SIZE + rest);
        if ret == MipOk {
          var made := Announce(HEADER_SIZE + rest, ValidPacket);
          AcceptPacket(checkNow, HEADER_SIZE + rest, made);
        } else {
          var made := Announce(HEADER_SIZE, BadChecksum);
          RejectPacket(checkNow, made);
        }
      } else {
        var late := Timeout(checkNow);
        var made := [];
        if late {
          made := Announce(HEADER_SIZE, TimedOut);
        }
        WaitOrGiveUp(checkNow, late, made);
      }
    }

    /** With a whole header held, whether more bytes are needed is a matter of counting. */
    lemma HeldHeader()
      requires Valid() && byteCount == HEADER_SIZE
      ensures packet[..HEADER_SIZE] == r.stream[r.pos..r.pos + HEADER_SIZE]
      ensures Decide(r.stream, r.pos).NeedMore? <==> input.count < HEADER_SIZE - 1 + packet[3] + CHECKSUM_SIZE
    {
      hide Good, Queue, Singles, IsPacket;
      assert forall k :: 0 <= k < HEADER_SIZE ==> packet[..HEADER_SIZE][k] == r.stream[r.pos + k];
    }

    /** Looks ahead for the whole packet and tests its checksum. */
    method FetchPacket(size: nat) returns (ret: Code)
      requires Valid() && byteCount == HEADER_SIZE
      requires size == HEADER_SIZE + packet[3] + CHECKSUM_SIZE && input.count >= size - 1
      modifies packet
      ensures Valid() && r.pos + size <= |r.stream| && packet[..size] == r.stream[r.pos..r.pos + size]
      ensures packet[..HEADER_SIZE] == r.stream[r.pos..r.pos + HEADER_SIZE]
      ensures Decide(r.stream, r.pos) == if ret == MipOk then Accept(size) else Reject
    {
      hide Good, Queue, Singles, IsPacket, ChecksumMatches;
      ghost var s, p := r.stream, r.pos;
      assert packet[..HEADER_SIZE][3] == packet[3];
      Peek(HEADER_SIZE - 1, size - HEADER_SIZE);
      assert forall k :: 0 <= k < HEADER_SIZE ==> packet[..HEADER_SIZE][k] == s[p + k];
      hide Mirrors;
      ret := IsChecksumValid(packet);
      WholePacket(packet[..], size);
      assert packet[..][..size] == packet[..size];
    }

    method AcceptPacket(ghost checkNow: nat, size: nat, ghost made: seq<Call>)
      requires Valid() && byteCount == HEADER_SIZE && size >= HEADER_SIZE && Decide(r.stream, r.pos) == Accept(size)
      requires made == CallsFor(callbacks[..], r.stream[r.pos..r.pos + size], ValidPacket)
      modifies this, input
      ensures Valid() && input.everOverrun == old(input.everOverrun)
      ensures r == Settle(old(r), checkNow, packetTimeout, callbacks[..])
    {
      hide Reaches, Queue, Singles, Decide, CallsFor, Late, IsPacket, Good;
      SettleKeepsGood(r, checkNow, packetTimeout, callbacks[..]);
      TakeOff(size - 1);
      inSync := true;
      byteCount := 0;
      r := Settle(r, checkNow, packetTimeout, callbacks[..]);
    }

    /** Takes `n` bytes off the ring. */
    method TakeOff(n: nat)
      requires Shape() && Mirrors() && byteCount > 0 && n <= input.count
      modifies input
      ensures Shape() && input.everOverrun == old(input.everOverrun) && input.count == old(input.count) - n
      ensures input.Contents() == Singles(r.stream[r.pos + 1 + n..])
    {
      hide Queue, Singles;
      SinglesDrop(r.stream[r.pos + 1..], n);
      assert r.stream[r.pos + 1..][n..] == r.stream[r.pos + 1 + n..];
      var consumed := input.ConsumeEntries(n);
    }

    method RejectPacket(ghost checkNow: nat, ghost made: seq<Call>)
      requires Valid() && byteCount == HEADER_SIZE && Decide(r.stream, r.pos).Reject?
      requires made == CallsFor(callbacks[..], packet[..HEADER_SIZE], BadChecksum)
      modifies this
      ensures Valid() && r == Settle(old(r), checkNow, packetTimeout, callbacks[..])
    {
      hide Reaches, Queue, Singles, IsPacket, CallsFor;
      SettleKeepsGood(r, checkNow, packetTimeout, callbacks[..]);
      assert packet[..HEADER_SIZE][1] == r.stream[r.pos + 1];
      if inSync {
        badChecksums := Low32(badChecksums + 1);
      }
      inSync := false;
      byteCount := 0;
      r := Settle(r, checkNow, packetTimeout, callbacks[..]);
    }

    method Timeout(now: nat) returns (late: bool)
      ensures late == Late(startTime, now, packetTimeout)
    {
      if startTime > now {
        if 0xFFFF_FFFF - startTime + now >= packetTimeout {
          return true;
        }
      } else {
        if now - startTime >= packetTimeout {
          return true;
        }
      }
      return false;
    }

    method LookUp(dataSet: byte) returns (found: Option<nat>)
      ensures found == FindCallback(callbacks[..], dataSet)
    {
      if dataSet == 0 {
        return None;
      }
      var i := 0;
      while i < callbacks.Length
        invariant i <= callbacks.Length && FindFrom(callbacks[..], dataSet, 0) == FindFrom(callbacks[..], dataSet, i)
      {
        if callbacks[i].dataSet == dataSet && callbacks[i].handler != 0 {
          return Some(i);
        }
        i := i + 1;
      }
      return None;
    }

    /** Announces the first `size` bytes of the packet buffer; the result is the call made, if any. */
    method Announce(size: nat, kind: Kind) returns (made: seq<Call>)
      requires packet.Length == MAX_PACKET_SIZE && HEADER_SIZE <= size <= MAX_PACKET_SIZE
      ensures made == CallsFor(callbacks[..], packet[..size], kind)
      ensures RightCalls(callbacks[..], packet[2], packet[..size], kind, made)
    {
      CallsAreRight(callbacks[..], packet[..size], kind);
      hide RightCalls;
      var found := LookUp(packet[2]);
      match found
      case None => made := [];
      case Some(i) => made := [Call(callbacks[i].handler, callbacks[i].userPtr, packet[..size], kind)];
    }
  }
}
