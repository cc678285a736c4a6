/** MIP packets as built and read by mip.c: a 4-byte header (two sync bytes, descriptor set, payload
    size), a payload of fields, and two check bytes. */
module Mip {
  import opened Bytes
  import opened Checksums
  import opened RingBuffers

  const SYNC_BYTE1: byte := 0x75
  const SYNC_BYTE2: byte := 0x65
  const HEADER_SIZE: nat := 4
  const FIELD_HEADER_SIZE: nat := 2
  const CHECKSUM_SIZE: nat := 2
  const MAX_PAYLOAD_SIZE: nat := 255
  const MAX_PACKET_SIZE: nat := 261

  datatype Code = MipOk | MipError | MipMemoryError | FieldNotAvailable | InvalidPacket | ChecksumError

  datatype Field = Field(descriptor: byte, data: seq<byte>)

  // ---- The format ----

  /** A memory block that starts with a header and is long enough for the packet it announces. */
  predicate HoldsPacket(mem: seq<byte>) {
    HEADER_SIZE <= |mem| && HEADER_SIZE + mem[3] + CHECKSUM_SIZE <= |mem|
  }

  predicate HasSync(mem: seq<byte>)
    requires |mem| >= HEADER_SIZE
  {
    mem[0] == SYNC_BYTE1 && mem[1] == SYNC_BYTE2
  }

  function Payload(mem: seq<byte>): seq<byte>
    requires HoldsPacket(mem)
  {
    mem[HEADER_SIZE..HEADER_SIZE + mem[3]]
  }

  /** The bytes the checksum covers: header and payload. */
  function Covered(mem: seq<byte>): seq<byte>
    requires HoldsPacket(mem)
  {
    mem[..HEADER_SIZE + mem[3]]
  }

  predicate ChecksumMatches(mem: seq<byte>)
    requires HoldsPacket(mem)
  {
    mem[HEADER_SIZE + mem[3]..HEADER_SIZE + mem[3] + CHECKSUM_SIZE] == Fletcher(Covered(mem))
  }

  /** Exactly one whole packet that a receiver accepts. */
  predicate IsPacket(p: seq<byte>) {
    HoldsPacket(p) && |p| == HEADER_SIZE + p[3] + CHECKSUM_SIZE && HasSync(p) && ChecksumMatches(p)
  }

  /** A data field fits the format when its one-byte size can be written. */
  predicate FieldFits(f: Field) {
    |f.data| + FIELD_HEADER_SIZE <= MAX_PAYLOAD_SIZE
  }

  function EncodeField(f: Field): (s: seq<byte>)
    requires FieldFits(f)
    ensures |s| == |f.data| + FIELD_HEADER_SIZE
  {
    [(|f.data| + FIELD_HEADER_SIZE) as byte, f.descriptor] + f.data
  }

  function EncodeFields(fields: seq<Field>): seq<byte>
    requires forall f :: f in fields ==> FieldFits(f)
  {
    if fields == [] then [] else EncodeField(fields[0]) + EncodeFields(fields[1..])
  }

  predicate FieldsFit(fields: seq<Field>) {
    (forall f :: f in fields ==> FieldFits(f)) && |EncodeFields(fields)| <= MAX_PAYLOAD_SIZE
  }

  /** The packet that carries `fields`, as the format defines it. */
  function Packet(descriptorSet: byte, fields: seq<Field>): seq<byte>
    requires FieldsFit(fields)
  {
    var body := EncodeFields(fields);
    var covered := [SYNC_BYTE1, SYNC_BYTE2, descriptorSet, |body| as byte] + body;
    covered + Fletcher(covered)
  }

  lemma SumsOfSix(a: byte, b: byte, c: byte, d: byte, e: byte, f: byte)
    ensures Sum([a, b, c, d, e, f]) == a + b + c + d + e + f
    ensures Weighted([a, b, c, d, e, f]) == 6 * a + 5 * b + 4 * c + 3 * d + 2 * e + f
  {
    assert [a, b, c, d, e, f][1..] == [b, c, d, e, f] && [b, c, d, e, f][1..] == [c, d, e, f];
    assert [c, d, e, f][1..] == [d, e, f] && [d, e, f][1..] == [e, f] && [e, f][1..] == [f] && [f][1..] == [];
    assert Sum([f]) == f && Weighted([f]) == f;
    assert Sum([e, f]) == e + f && Weighted([e, f]) == 2 * e + f;
    assert Sum([d, e, f]) == d + e + f && Weighted([d, e, f]) == 3 * d + 2 * e + f;
    assert Sum([c, d, e, f]) == c + d + e + f && Weighted([c, d, e, f]) == 4 * c + 3 * d + 2 * e + f;
    assert Sum([b, c, d, e, f]) == b + c + d + e + f && Weighted([b, c, d, e, f]) == 5 * b + 4 * c + 3 * d + 2 * e + f;
  }

  /** A ping, as it goes over the line. */
  lemma PingPacket()
    ensures var fields := [Field(0x01, [])];
            FieldsFit(fields) && Packet(0x01, fields) == [0x75, 0x65, 0x01, 0x02, 0x02, 0x01, 0xE0, 0xC6]
  {
    var fields := [Field(0x01, [])];
    assert EncodeFields(fields[1..]) == [] && EncodeFields(fields) == [0x02, 0x01];
    SumsOfSix(0x75, 0x65, 0x01, 0x02, 0x02, 0x01);
    hide Sum, Weighted, EncodeFields;
    assert [0x75, 0x65, 0x01, 0x02] + EncodeFields(fields) == [0x75, 0x65, 0x01, 0x02, 0x02, 0x01];
  }

  /** A command with data, which turns a stream of the device on. */
  lemma StreamPacket()
    ensures var fields := [Field(0x11, [0x01, 0x01, 0x01])];
            FieldsFit(fields) &&
            Packet(0x0C, fields) == [0x75, 0x65, 0x0C, 0x05, 0x05, 0x11, 0x01, 0x01, 0x01, 0x04, 0x1A]
  {
    var fields := [Field(0x11, [0x01, 0x01, 0x01])];
    assert EncodeFields(fields[1..]) == [] && EncodeFields(fields) == [0x05, 0x11, 0x01, 0x01, 0x01];
    StreamSums();
    hide Sum, Weighted, EncodeFields;
    assert [0x75, 0x65, 0x0C, 0x05] + EncodeFields(fields) == [0x75, 0x65, 0x0C, 0x05, 0x05, 0x11, 0x01, 0x01, 0x01];
  }

  lemma StreamSums()
    ensures var covered: seq<byte> := [0x75, 0x65, 0x0C, 0x05, 0x05, 0x11, 0x01, 0x01, 0x01];
            Sum(covered) == 0x104 && Weighted(covered) == 0x81A
  {
    var six: seq<byte> := [0x75, 0x65, 0x0C, 0x05, 0x05, 0x11];
    SumsOfSix(0x75, 0x65, 0x0C, 0x05, 0x05, 0x11);
    SumSnoc(six, 0x01);
    SumSnoc(six + [0x01], 0x01);
    SumSnoc(six + [0x01] + [0x01], 0x01);
    WeightedSnoc(six, 0x01);
    WeightedSnoc(six + [0x01], 0x01);
    WeightedSnoc(six + [0x01] + [0x01], 0x01);
    hide Sum, Weighted;
    assert six + [0x01] + [0x01] + [0x01] == [0x75, 0x65, 0x0C, 0x05, 0x05, 0x11, 0x01, 0x01, 0x01];
  }

  lemma PacketIsPacket(descriptorSet: byte, fields: seq<Field>)
    requires FieldsFit(fields)
    ensures IsPacket(Packet(descriptorSet, fields))
    ensures Payload(Packet(descriptorSet, fields)) == EncodeFields(fields)
    ensures Packet(descriptorSet, fields)[2] == descriptorSet
  {
    var body := EncodeFields(fields);
    var covered := [SYNC_BYTE1, SYNC_BYTE2, descriptorSet, |body| as byte] + body;
    var p := Packet(descriptorSet, fields);
    assert p[..|covered|] == covered && p[|covered|..|covered| + 2] == Fletcher(covered);
    assert p[4..|covered|] == body;
  }

  lemma {:induction false} EncodeFieldsSnoc(fields: seq<Field>, f: Field)
    requires forall g :: g in fields ==> FieldFits(g)
    requires FieldFits(f)
    ensures EncodeFields(fields + [f]) == EncodeFields(fields) + EncodeField(f)
  {
    if fields != [] {
      assert (fields + [f])[1..] == fields[1..] + [f];
      EncodeFieldsSnoc(fields[1..], f);
    }
  }

  // ---- Walking over the fields ----

  datatype Walk = Walk(fields: seq<Field>, end: Code)

  /** What a client collects by asking for the first field and then for the next one until the answer
      is not "ok". A field shorter than its own header has no data. */
  function WalkFields(payload: seq<byte>, offset: nat): Walk
    decreases |payload| - offset
  {
    if offset >= |payload| then Walk([], FieldNotAvailable)
    else if payload[offset] == 0 then Walk([], MipError)
    else
      var rest := WalkFields(payload, offset + payload[offset]);
      Walk([FieldAt(payload, offset)] + rest.fields, rest.end)
  }

  function Prepend(fields: seq<Field>, w: Walk): Walk {
    Walk(fields + w.fields, w.end)
  }

  lemma WalkStep(payload: seq<byte>, offset: nat, fields: seq<Field>)
    requires offset < |payload| && payload[offset] > 0
    ensures Prepend(fields, WalkFields(payload, offset))
         == Prepend(fields + [FieldAt(payload, offset)], WalkFields(payload, offset + payload[offset]))
  {
    var rest := WalkFields(payload, offset + payload[offset]).fields;
    assert fields + ([FieldAt(payload, offset)] + rest) == fields + [FieldAt(payload, offset)] + rest;
  }

  /** The field whose header starts at `offset`, clipped to the payload. */
  function FieldAt(payload: seq<byte>, offset: nat): Field
    requires offset < |payload|
  {
    var last := Min(offset + payload[offset], |payload|);
    Field(if offset + 1 < |payload| then payload[offset + 1] else 0,
          if offset + 2 <= last then payload[offset + 2..last] else [])
  }

  /** Reading a field that was encoded into the middle of a payload. */
  lemma FieldAtEncoded(before: seq<byte>, f: Field, after: seq<byte>)
    requires FieldFits(f)
    ensures var payload := before + EncodeField(f) + after;
            payload[|before|] == |f.data| + FIELD_HEADER_SIZE && FieldAt(payload, |before|) == f
  {
    var payload := before + EncodeField(f) + after;
    var e := EncodeField(f);
    assert payload[|before|..|before| + |e|] == e;
    assert payload[|before|] == e[0] && payload[|before| + 1] == e[1];
    assert payload[|before| + 2..|before| + |e|] == e[2..];
  }

  lemma EncodeFieldsFirst(before: seq<byte>, fields: seq<Field>)
    requires fields != [] && forall f :: f in fields ==> FieldFits(f)
    ensures before + EncodeFields(fields) == before + EncodeField(fields[0]) + EncodeFields(fields[1..])
  {
  }

  /** Reading the fields of an encoded payload gives them back, and then "not available". */
  lemma {:induction false} WalkUndoesEncode(before: seq<byte>, fields: seq<Field>)
    requires forall f :: f in fields ==> FieldFits(f)
    ensures WalkFields(before + EncodeFields(fields), |before|) == Walk(fields, FieldNotAvailable)
    decreases |fields|
  {
    if fields != [] {
      EncodeFieldsFirst(before, fields);
      hide FieldAt, EncodeField, EncodeFields;
      var f, rest := fields[0], EncodeFields(fields[1..]);
      FieldAtEncoded(before, f, rest);
      WalkUndoesEncode(before + EncodeField(f), fields[1..]);
      assert [f] + fields[1..] == fields;
    }
  }

  /** The format round trip: every list of fields that fits is read back from its packet. */
  lemma FieldsRoundTrip(descriptorSet: byte, fields: seq<Field>)
    requires FieldsFit(fields)
    ensures WalkFields(Payload(Packet(descriptorSet, fields)), 0) == Walk(fields, FieldNotAvailable)
  {
    PacketIsPacket(descriptorSet, fields);
    WalkUndoesEncode([], fields);
    assert [] + EncodeFields(fields) == EncodeFields(fields);
  }

  // ---- What the checksum rejects ----

  /** Changing any one byte of a packet, other than the payload size, makes it unacceptable. */
  lemma OneByteChangeRejected(p: seq<byte>, i: nat, v: byte)
    requires IsPacket(p) && i < |p| && i != 3 && v != p[i]
    ensures !IsPacket(p[i := v])
  {
    var n := HEADER_SIZE + p[3];
    var q := p[i := v];
    assert q[3] == p[3];
    if i < n {
      assert Covered(q) == Covered(p)[i := v];
      SumUpdate(Covered(p), i, v);
      var a, b := Sum(Covered(p)), Sum(Covered(q));
      if a < b { Low8Differs(a, b); } else { Low8Differs(b, a); }
      assert q[n..n + 2][0] == p[n..n + 2][0] == Low8(a);
    } else {
      assert Covered(q) == Covered(p);
      assert q[n..n + 2][i - n] != p[n..n + 2][i - n];
    }
  }

  /** So does exchanging two different neighbours after the header, check bytes included. */
  lemma SwapRejected(p: seq<byte>, i: nat)
    requires IsPacket(p) && HEADER_SIZE <= i && i + 1 < |p| && p[i] != p[i + 1]
    ensures !IsPacket(Swapped(p, i))
  {
    var n := HEADER_SIZE + p[3];
    var q := Swapped(p, i);
    var s, t := Covered(p), Covered(q);
    assert q[n..n + 2] == [q[n], q[n + 1]] && p[n..n + 2] == [p[n], p[n + 1]];
    if i + 1 < n {
      assert t == Swapped(s, i);
      SwapSums(s, i);
      var a, b := Weighted(s), Weighted(t);
      if a < b { Low8Differs(a, b); } else { Low8Differs(b, a); }
    } else if i >= n {
      assert t == s;
    } else {
      SwapAcrossEnd(p, i);
    }
  }

  /** The last payload byte exchanged with the first check byte: the first check byte can agree again,
      the second then cannot. */
  lemma SwapAcrossEnd(p: seq<byte>, i: nat)
    requires IsPacket(p) && HEADER_SIZE <= i && i + 1 == HEADER_SIZE + p[3] && p[i] != p[i + 1]
    ensures !IsPacket(Swapped(p, i))
  {
    var n := i + 1;
    var q := Swapped(p, i);
    var s, t := Covered(p), Covered(q);
    assert s == s[..i] + [p[i]] && t == s[..i] + [p[n]];
    SumSnoc(s[..i], p[i]);
    SumSnoc(s[..i], p[n]);
    WeightedSnoc(s[..i], p[i]);
    WeightedSnoc(s[..i], p[n]);
    assert p[n..n + 2] == [p[n], p[n + 1]] && q[n..n + 2] == [p[i], p[n + 1]];
    var a, b := Weighted(s), Weighted(t);
    if a < b { Low8Differs(a, b); } else { Low8Differs(b, a); }
  }

  // ---- The functions of mip.c ----

  method Init(buffer: array<byte>, bufferSize: nat, descriptorSet: byte) returns (ret: Code)
    requires bufferSize <= buffer.Length
    modifies buffer
    ensures ret == if bufferSize < HEADER_SIZE + CHECKSUM_SIZE then MipMemoryError else MipOk
    ensures ret != MipOk ==> buffer[..] == old(buffer[..])
    ensures ret == MipOk ==>
              buffer[..] == Overwrite(old(buffer[..]), 0, [SYNC_BYTE1, SYNC_BYTE2, descriptorSet, 0])
  {
    if bufferSize < HEADER_SIZE + CHECKSUM_SIZE {
      return MipMemoryError;
    }
    buffer[0] := SYNC_BYTE1;
    buffer[1] := SYNC_BYTE2;
    buffer[2] := descriptorSet;
    buffer[3] := 0;
    return MipOk;
  }

  /** The packet size `AddField` compares with its limits, computed in 16 bits. */
  function NewPacketSize(payloadSize: byte, dataSize: nat): nat {
    Low16(HEADER_SIZE + payloadSize + dataSize + FIELD_HEADER_SIZE + CHECKSUM_SIZE)
  }

  /** The 16-bit comparison is the comparison with the true size for every buffer exactly when the true
      size is below 2^16, or so far above that what is left of it is still too big. */
  lemma SizeCheckExact(payloadSize: byte, dataSize: nat)
    requires dataSize < 0x1_0000
    ensures (forall bufferSize: nat :: bufferSize < 0x1_0000 ==>
               (NewPacketSize(payloadSize, dataSize) <= Min(MAX_PACKET_SIZE, bufferSize)
                <==> payloadSize + dataSize + 8 <= Min(MAX_PACKET_SIZE, bufferSize)))
       <==> payloadSize + dataSize + 8 < 0x1_0000 || payloadSize + dataSize + 8 - 0x1_0000 > MAX_PACKET_SIZE
  {
    var size := payloadSize + dataSize + 8;
    if size >= 0x1_0000 {
      assert NewPacketSize(payloadSize, dataSize) == size - 0x1_0000;
      assert (NewPacketSize(payloadSize, dataSize) <= Min(MAX_PACKET_SIZE, 0xffff)) <==> size - 0x1_0000 <= MAX_PACKET_SIZE;
    }
  }

  predicate RoomFor(mem: seq<byte>, f: Field) {
    HEADER_SIZE <= |mem| && mem[3] + |f.data| + 8 <= Min(MAX_PACKET_SIZE, |mem|)
  }

  /** Memory after `f` was copied behind the payload and the payload size was raised. */
  function WithField(mem: seq<byte>, f: Field): seq<byte>
    requires RoomFor(mem, f)
  {
    Overwrite(mem, HEADER_SIZE + mem[3], EncodeField(f))[3 := mem[3] + |f.data| + FIELD_HEADER_SIZE]
  }

  /** That appends the field to the payload and touches nothing else of the packet. */
  lemma FieldAppended(mem: seq<byte>, f: Field)
    requires RoomFor(mem, f)
    ensures HoldsPacket(mem) && HoldsPacket(WithField(mem, f)) && |WithField(mem, f)| == |mem|
    ensures WithField(mem, f)[..3] == mem[..3]
    ensures Payload(WithField(mem, f)) == Payload(mem) + EncodeField(f)
  {
  }

  /** The bytes of a field; its size is cut to a byte. */
  function FieldBytes(descriptor: byte, dataSize: nat, data: seq<byte>): seq<byte> {
    [Low8(dataSize + FIELD_HEADER_SIZE), descriptor] + data
  }

  lemma FieldBytesFit(f: Field)
    requires FieldFits(f)
    ensures FieldBytes(f.descriptor, |f.data|, f.data) == EncodeField(f)
  {}

  /** Writes a field header and its data at `at`. */
  method PutField(buffer: array<byte>, at: nat, data: array?<byte>, dataSize: nat, descriptor: byte)
    requires at + FIELD_HEADER_SIZE + dataSize <= buffer.Length
    requires data == null ==> dataSize == 0
    requires data != null ==> data != buffer && dataSize <= data.Length
    modifies buffer
    ensures buffer[..] == Overwrite(old(buffer[..]), at, FieldBytes(descriptor, dataSize, if data == null then []
                                                                                          else data[..dataSize]))
  {
    ghost var before := buffer[..];
    ghost var head := [Low8(dataSize + FIELD_HEADER_SIZE), descriptor];
    buffer[at] := Low8(dataSize + FIELD_HEADER_SIZE);
    buffer[at + 1] := descriptor;
    assert buffer[..] == Overwrite(before, at, head);
    OverwriteOnward(before, at, head, if data == null then [] else data[..dataSize]);
    if data != null {
      CopyBytes(buffer, at + FIELD_HEADER_SIZE, data[..], 0, dataSize);
    }
  }

  /** What is written is the field appended, unless the size wraps. */
  lemma FieldWritten(mem: seq<byte>, bufferSize: nat, descriptor: byte, dataSize: nat, data: seq<byte>)
    requires HEADER_SIZE <= |mem| && bufferSize <= |mem| && |data| == dataSize
    requires HEADER_SIZE + mem[3] + FIELD_HEADER_SIZE + dataSize <= |mem|
    requires NewPacketSize(mem[3], dataSize) <= Min(MAX_PACKET_SIZE, bufferSize)
    ensures Overwrite(mem, HEADER_SIZE + mem[3], FieldBytes(descriptor, dataSize, data))[3] == mem[3]
    ensures mem[3] + dataSize + 8 < 0x1_0000 ==>
              RoomFor(mem, Field(descriptor, data)) &&
              WithField(mem, Field(descriptor, data)) ==
              Overwrite(mem, HEADER_SIZE + mem[3], FieldBytes(descriptor, dataSize, data))
              [3 := Low8(mem[3] + dataSize + FIELD_HEADER_SIZE)]
  {
    if mem[3] + dataSize + 8 < 0x1_0000 {
      FieldBytesFit(Field(descriptor, data));
    }
  }

  /** `data` may be the null pointer, as in C. The memory behind the buffer need only be there for what is copied,
      which is more than the size test allows for when the size wraps. */
  method AddField(buffer: array<byte>, bufferSize: nat, data: array?<byte>, dataSize: nat, descriptor: nat)
    returns (ret: Code)
    requires bufferSize <= buffer.Length && HEADER_SIZE <= buffer.Length && dataSize < 0x1_0000
    requires data != null ==> data != buffer && dataSize <= data.Length
    requires NewPacketSize(buffer[3], dataSize) <= Min(MAX_PACKET_SIZE, bufferSize) ==>
               HEADER_SIZE + buffer[3] + FIELD_HEADER_SIZE + dataSize <= buffer.Length
    modifies buffer
    ensures ret == if data == null && dataSize > 0 then MipError
                   else if NewPacketSize(old(buffer[3]), dataSize) > Min(MAX_PACKET_SIZE, bufferSize) then MipMemoryError
                   else MipOk
    ensures ret != MipOk ==> buffer[..] == old(buffer[..])
    ensures ret == MipOk ==>
              var bytes := FieldBytes(Low8(descriptor), dataSize, if data == null then [] else data[..dataSize]);
              buffer[..] == Overwrite(old(buffer[..]), HEADER_SIZE + old(buffer[3]), bytes)
                            [3 := Low8(old(buffer[3]) + dataSize + FIELD_HEADER_SIZE)]
    ensures ret == MipOk && old(buffer[3]) + dataSize + 8 < 0x1_0000 ==>
              var f := Field(Low8(descriptor), if data == null then [] else data[..dataSize]);
              RoomFor(old(buffer[..]), f) && buffer[..] == WithField(old(buffer[..]), f)
  {
    if data == null && dataSize > 0 {
      return MipError;
    }
    var newPacketSize := Low16(HEADER_SIZE + buffer[3] + dataSize + FIELD_HEADER_SIZE + CHECKSUM_SIZE);
    if newPacketSize > MAX_PACKET_SIZE || newPacketSize > bufferSize {
      return MipMemoryError;
    }
    var at := HEADER_SIZE + buffer[3];
    FieldWritten(buffer[..], bufferSize, Low8(descriptor), dataSize, if data == null then [] else data[..dataSize]);
    hide WithField, FieldBytes, RoomFor, Overwrite, Low16, Low8;
    PutField(buffer, at, data, dataSize, Low8(descriptor));
    buffer[3] := Low8(buffer[3] + dataSize + FIELD_HEADER_SIZE);
    return MipOk;
  }

  method CalculateChecksum(buffer: array<byte>) returns (checksum: nat)
    requires HoldsPacket(buffer[..])
    ensures checksum == Low8(Sum(Covered(buffer[..]))) * 0x100 + Low8(Weighted(Covered(buffer[..])))
  {
    var range := HEADER_SIZE + buffer[3];
    if range > MAX_PACKET_SIZE - CHECKSUM_SIZE {
      assert false; // returns 0 in C; a one-byte payload size cannot lead here
    }
    var byte1: byte, byte2: byte := 0, 0;
    assert buffer[..0] == [] && Low8(0) == 0 && Sum([]) == Weighted([]) == 0;
    assert Covered(buffer[..]) == buffer[..range];
    hide Low8, Sum, Weighted, Covered;
    for i := 0 to range
      invariant byte1 == Low8(Sum(buffer[..i])) && byte2 == Low8(Weighted(buffer[..i]))
    {
      FletcherStep(buffer[..i], buffer[i]);
      assert buffer[..i + 1] == buffer[..i] + [buffer[i]];
      byte1 := Low8(byte1 + buffer[i]);
      byte2 := Low8(byte2 + byte1);
    }
    return byte1 * 0x100 + byte2;
  }

  /** The two halves of a checksum, high byte first. */
  method PutChecksum(buffer: array<byte>, offset: nat, checksum: nat)
    requires offset + CHECKSUM_SIZE <= buffer.Length
    modifies buffer
    ensures buffer[..] == Overwrite(old(buffer[..]), offset, [Low8(checksum / 0x100), Low8(checksum)])
  {
    buffer[offset] := Low8(checksum / 0x100);
    buffer[offset + 1] := Low8(checksum);
  }

  lemma HighLow(high: byte, low: byte)
    ensures Low8((high * 0x100 + low) / 0x100) == high && Low8(high * 0x100 + low) == low
  {}

  /** Memory with the checksum behind the payload holds a packet if it has the sync bytes. */
  lemma Finalized(mem: seq<byte>, offset: nat)
    requires HoldsPacket(mem) && offset == HEADER_SIZE + mem[3]
    ensures offset + CHECKSUM_SIZE <= |mem|
    ensures var m := Overwrite(mem, offset, Fletcher(Covered(mem)));
            m[3] == mem[3] && (HasSync(mem) ==> IsPacket(m[..offset + CHECKSUM_SIZE]))
  {
    hide Sum, Weighted;
    var m := Overwrite(mem, offset, Fletcher(Covered(mem)));
    assert Covered(m[..offset + 2]) == Covered(mem);
    assert m[..offset + 2][offset..] == Fletcher(Covered(mem));
  }

  method Finalize(buffer: array<byte>) returns (size: nat)
    requires HoldsPacket(buffer[..])
    modifies buffer
    ensures size == HEADER_SIZE + old(buffer[3]) + CHECKSUM_SIZE
    ensures buffer[..] == Overwrite(old(buffer[..]), HEADER_SIZE + old(buffer[3]), Fletcher(Covered(old(buffer[..]))))
    ensures HasSync(old(buffer[..])) ==> IsPacket(buffer[..size])
  {
    var offset := HEADER_SIZE + buffer[3];
    if offset > MAX_PACKET_SIZE - CHECKSUM_SIZE {
      assert false; // returns 0 in C; a one-byte payload size cannot lead here
    }
    ghost var before := buffer[..];
    HighLow(Low8(Sum(Covered(before))), Low8(Weighted(Covered(before))));
    Finalized(before, offset);
    hide Sum, Weighted, Low8, Covered, IsPacket, Overwrite, HasSync;
    var checksum := CalculateChecksum(buffer);
    PutChecksum(buffer, offset, checksum);
    return HEADER_SIZE + buffer[3] + CHECKSUM_SIZE;
  }

  method IsChecksumValid(buffer: array<byte>) returns (ret: Code)
    requires HoldsPacket(buffer[..])
    ensures ret == if !HasSync(buffer[..]) then InvalidPacket
                   else if ChecksumMatches(buffer[..]) then MipOk else ChecksumError
  {
    if !(buffer[0] == SYNC_BYTE1 && buffer[1] == SYNC_BYTE2 && buffer[3] <= MAX_PAYLOAD_SIZE) {
      return InvalidPacket;
    }
    var offset := buffer[3] + HEADER_SIZE;
    var packetChecksum := (buffer[offset] as int) * 0x100 + buffer[offset + 1];
    var expected := CalculateChecksum(buffer);
    assert buffer[..][offset..offset + 2] == [buffer[offset], buffer[offset + 1]];
    if packetChecksum == expected {
      return MipOk;
    } else {
      return ChecksumError;
    }
  }

  /** What asking for the field at `offset` answers: the return code, the index of the field header
      (the two C pointers are this index and the one two bytes on), and the offset after the field. */
  function NextField(mem: seq<byte>, offset: nat): (Code, nat, nat)
    requires HoldsPacket(mem)
  {
    if !HasSync(mem) then (InvalidPacket, 0, offset)
    else if offset >= mem[3] then (FieldNotAvailable, 0, offset)
    else if mem[HEADER_SIZE + offset] == 0 then (MipError, HEADER_SIZE + offset, offset)
    else (MipOk, HEADER_SIZE + offset, offset + mem[HEADER_SIZE + offset])
  }

  /** One answer is one step of the walk over the payload. */
  lemma NextFieldWalks(mem: seq<byte>, offset: nat, fields: seq<Field>)
    requires HoldsPacket(mem) && HasSync(mem)
    ensures var (ret, at, next) := NextField(mem, offset);
            var payload := Payload(mem);
            if ret != MipOk then
              Prepend(fields, WalkFields(payload, offset)) == Walk(fields, ret)
            else
              offset < next && offset < |payload| && at == HEADER_SIZE + offset &&
              Prepend(fields, WalkFields(payload, offset))
                == Prepend(fields + [FieldAt(payload, offset)], WalkFields(payload, next))
  {
    hide FieldAt;
    var payload := Payload(mem);
    assert fields + [] == fields;
    assert offset < |payload| ==> payload[offset] == mem[HEADER_SIZE + offset];
    if offset < |payload| && payload[offset] > 0 {
      hide WalkFields;
      WalkStep(payload, offset, fields);
    }
  }

  method GetNextField(buffer: array<byte>, offset: nat) returns (ret: Code, at: nat, next: nat)
    requires HoldsPacket(buffer[..]) && offset < 0x1_0000
    ensures (ret, at, next) == NextField(buffer[..], offset)
  {
    at, next := 0, offset;
    if !(buffer[0] == SYNC_BYTE1 && buffer[1] == SYNC_BYTE2 && buffer[3] <= MAX_PAYLOAD_SIZE) {
      return InvalidPacket, at, next;
    }
    if offset >= buffer[3] {
      return FieldNotAvailable, at, next;
    }
    at := HEADER_SIZE + offset;
    if buffer[at] == 0 {
      return MipError, at, next;
    }
    next := Low16(offset + buffer[at]);
    return MipOk, at, next;
  }

  method GetFirstField(buffer: array<byte>) returns (ret: Code, at: nat, next: nat)
    requires HoldsPacket(buffer[..])
    ensures (ret, at, next) == NextField(buffer[..], 0)
  {
    ret, at, next := GetNextField(buffer, 0);
  }

  // ---- Clients ----

  /** A packet is built the way every sender builds it: initialise, add each field, finalise. */
  method BuildPacket(buffer: array<byte>, descriptorSet: byte, fields: seq<Field>) returns (size: nat)
    requires FieldsFit(fields) && |EncodeFields(fields)| + HEADER_SIZE + CHECKSUM_SIZE <= buffer.Length < 0x1_0000
    modifies buffer
    ensures size <= buffer.Length && buffer[..size] == Packet(descriptorSet, fields)
  {
    var ret := Init(buffer, buffer.Length, descriptorSet);
    for i := 0 to |fields|
      invariant buffer[..3] == [SYNC_BYTE1, SYNC_BYTE2, descriptorSet]
      invariant HoldsPacket(buffer[..]) && Payload(buffer[..]) == EncodeFields(fields[..i])
    {
      NextFieldFits(fields, i);
      FieldAppended(buffer[..], fields[i]);
      ret := AppendField(buffer, fields[i]);
    }
    assert fields[..|fields|] == fields;
    assert Covered(buffer[..]) == [SYNC_BYTE1, SYNC_BYTE2, descriptorSet, buffer[3]] + EncodeFields(fields);
    size := Finalize(buffer);
  }

  method AppendField(buffer: array<byte>, f: Field) returns (ret: Code)
    requires buffer.Length < 0x1_0000 && RoomFor(buffer[..], f)
    modifies buffer
    ensures ret == MipOk && buffer[..] == WithField(old(buffer[..]), f)
  {
    hide Overwrite, FieldBytes, WithField, EncodeField;
    var data := new byte[|f.data|](k requires 0 <= k < |f.data| => f.data[k]);
    assert data[..|f.data|] == f.data;
    ret := AddField(buffer, buffer.Length, data, |f.data|, f.descriptor);
  }

  /** While a list of fields that fits is being added, there is room for the next one. */
  lemma NextFieldFits(fields: seq<Field>, i: nat)
    requires FieldsFit(fields) && i < |fields|
    ensures FieldFits(fields[i])
    ensures EncodeFields(fields[..i + 1]) == EncodeFields(fields[..i]) + EncodeField(fields[i])
    ensures |EncodeFields(fields[..i])| + |EncodeField(fields[i])| <= |EncodeFields(fields)| <= MAX_PAYLOAD_SIZE
  {
    assert fields[i] in fields;
    PrefixFits(fields, i + 1);
    assert fields[..i + 1] == fields[..i] + [fields[i]];
    EncodeFieldsSnoc(fields[..i], fields[i]);
  }

  lemma {:induction false} PrefixFits(fields: seq<Field>, n: nat)
    requires n <= |fields| && forall f :: f in fields ==> FieldFits(f)
    ensures |EncodeFields(fields[..n])| <= |EncodeFields(fields)|
    decreases |fields| - n
  {
    if n < |fields| {
      PrefixFits(fields, n + 1);
      assert fields[..n + 1] == fields[..n] + [fields[n]];
      EncodeFieldsSnoc(fields[..n], fields[n]);
    } else {
      assert fields[..n] == fields;
    }
  }

  /** A packet is read the way every receiver reads it: first field, then next, until refused. */
  method ReadFields(buffer: array<byte>) returns (walk: Walk)
    requires HoldsPacket(buffer[..]) && HasSync(buffer[..])
    ensures walk == WalkFields(Payload(buffer[..]), 0)
  {
    ghost var mem := buffer[..];
    var payload := buffer[HEADER_SIZE..HEADER_SIZE + buffer[3]];
    assert payload == Payload(mem);
    var fields: seq<Field> := [];
    ghost var offset: nat := 0;
    var ret, at, next := GetFirstField(buffer);
    NextFieldWalks(mem, offset, fields);
    while ret == MipOk
      invariant (ret, at, next) == NextField(mem, offset) && offset < 0x1_0000
      invariant WalkFields(payload, 0) == Prepend(fields, WalkFields(payload, offset))
      decreases |payload| - offset
    {
      NextFieldWalks(mem, offset, fields);
      fields := fields + [FieldAt(payload, at - HEADER_SIZE)];
      offset := next;
      ret, at, next := GetNextField(buffer, next);
    }
    NextFieldWalks(mem, offset, fields);
    return Walk(fields, ret);
  }
}
